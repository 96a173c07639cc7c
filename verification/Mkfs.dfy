/**
 mkfs/mkfs.c: the image that the kernel starts from. Blocks are handed out in order, files are
 appended to, and the bitmap is written at the end.
 */
module Mkfs {
  import opened Blocks
  import opened FsSpec
  import opened FsFiles
  import opened FsOps

  // -------------------------------------------------------- blocks in order

  ghost function Below(sb: Super, free: nat): (bits: seq<bool>)
    ensures |bits| == sb.size
  {
    seq(sb.size, b => b < free)
  }

  /** Exactly the data blocks before `free` are owned, and no other block has been written. */
  ghost predicate Made(sb: Super, fs: Fs, free: nat, owner: map<nat, Slot>) {
    && Shape(sb, fs) && sb.dstart <= free <= sb.size
    && Owned(sb, fs, Below(sb, free), owner, {})
    && (forall b :: 0 <= b < sb.size && !(sb.dstart <= b < free) ==> fs.data[b] == ZeroBlock())
  }

  lemma Take(sb: Super, fs: Fs, free: nat, owner: map<nat, Slot>)
    requires Made(sb, fs, free, owner) && free < sb.size
    ensures sb.IsData(free) && Owned(sb, fs, Below(sb, free + 1), owner, {free})
  {
    AllocKeeps(sb, fs, fs.data, Below(sb, free), owner, free);
    assert Below(sb, free)[free := true] == Below(sb, free + 1);
  }

  /** The next block goes into the empty slot `s`; files and all other slots are as before. */
  ghost predicate Took(sb: Super, fs: Fs, free: nat, owner: map<nat, Slot>, s: Slot, fs': Fs) {
    && Shape(sb, fs) && IsSlot(sb, s)
    && Made(sb, fs', free + 1, owner[free := s]) && Grown(sb, fs, fs')
    && (forall t :: IsSlot(sb, t) ==> SlotVal(sb, fs', t) == if t == s then free else SlotVal(sb, fs, t))
  }

  lemma TakeDirect(sb: Super, fs: Fs, free: nat, owner: map<nat, Slot>, ino: nat, i: nat)
    requires Made(sb, fs, free, owner) && free < sb.size
    requires ino < sb.ninodes && i <= NDIRECT && fs.inodes[ino].addrs[i] == 0
    ensures Took(sb, fs, free, owner, Direct(ino, i), SetAddr(fs, ino, i, free))
  {
    Take(sb, fs, free, owner);
    AttachDirect(sb, fs, Below(sb, free + 1), owner, ino, i, free);
  }

  lemma TakeEntry(sb: Super, fs: Fs, free: nat, owner: map<nat, Slot>, ino: nat, j: nat)
    requires Made(sb, fs, free, owner) && free < sb.size && ino < sb.ninodes && j < NINDIRECT
    requires SlotVal(sb, fs, Direct(ino, NDIRECT)) != 0 && SlotVal(sb, fs, Indirect(ino, j)) == 0
    ensures fs.inodes[ino].addrs[NDIRECT] < sb.size
    ensures Took(sb, fs, free, owner, Indirect(ino, j), SetEntry(fs, fs.inodes[ino].addrs[NDIRECT], j, free))
  {
    var a := fs.inodes[ino].addrs[NDIRECT];
    OwnedBelow(sb, fs, free, owner, Direct(ino, NDIRECT));
    Take(sb, fs, free, owner);
    AttachIndirect(sb, fs, Below(sb, free + 1), owner, ino, j, free);
    var fs' := SetEntry(fs, a, j, free);
    forall t | IsSlot(sb, t)
      ensures SlotVal(sb, fs', t) == if t == Indirect(ino, j) then free else SlotVal(sb, fs, t)
    {
      if t.Indirect? && t.ino == ino {
        WordSetWord(fs.data[a], j, free, t.j);
      } else if t.Indirect? {
        assert IsSlot(sb, Direct(t.ino, NDIRECT));
        assert SlotVal(sb, fs, Direct(t.ino, NDIRECT)) != a;
      }
    }
  }

  lemma OwnedBelow(sb: Super, fs: Fs, free: nat, owner: map<nat, Slot>, s: Slot)
    requires Made(sb, fs, free, owner) && IsSlot(sb, s) && SlotVal(sb, fs, s) != 0
    ensures sb.dstart <= SlotVal(sb, fs, s) < free
  {
    assert Below(sb, free)[SlotVal(sb, fs, s)];
  }

  // ------------------------------------------------------- how many blocks

  /** The blocks of a file of `size` bytes, with its indirect block. */
  function Needs(size: nat): nat {
    var n := (size + BSIZE - 1) / BSIZE;
    if n > NDIRECT then n + 1 else n
  }

  /** A file has blocks for its first `end` bytes and no others. */
  ghost predicate Exact(sb: Super, fs: Fs, i: nat, end: nat)
    requires Shape(sb, fs) && i < sb.ninodes
  {
    && (forall bn :: 0 <= bn < MAXFILE ==> (BlockNo(sb, fs, i, bn) != 0 <==> bn * BSIZE < end))
    && (fs.inodes[i].addrs[NDIRECT] != 0 <==> NDIRECT * BSIZE < end)
  }

  /** Every file has exactly the blocks it needs, where `ino` has grown to `end` bytes. */
  ghost predicate Laid(sb: Super, fs: Fs, ino: nat, end: nat) {
    && Shape(sb, fs) && ino < sb.ninodes
    && (forall i :: 0 <= i < sb.ninodes ==>
          fs.inodes[i].size <= MAXFILE * BSIZE && Exact(sb, fs, i, if i == ino then end else fs.inodes[i].size))
  }

  /** The file has gained block `bn`, and the indirect block if that needs it; nothing else. */
  ghost predicate Gained(sb: Super, fs: Fs, ino: nat, bn: nat, fs': Fs) {
    && Shape(sb, fs) && Shape(sb, fs') && ino < sb.ninodes && bn < MAXFILE
    && (forall i, b :: 0 <= i < sb.ninodes && 0 <= b < MAXFILE ==>
          (BlockNo(sb, fs', i, b) != 0 <==> BlockNo(sb, fs, i, b) != 0 || (i == ino && b == bn)))
    && (forall i :: 0 <= i < sb.ninodes ==>
          (fs'.inodes[i].addrs[NDIRECT] != 0 <==>
           fs.inodes[i].addrs[NDIRECT] != 0 || (i == ino && bn >= NDIRECT)))
  }

  lemma TookGains(sb: Super, fs: Fs, free: nat, owner: map<nat, Slot>, ino: nat, bn: nat, fs': Fs)
    requires ino < sb.ninodes && bn < MAXFILE && Took(sb, fs, free, owner, SlotFor(ino, bn), fs') && free != 0
    requires bn >= NDIRECT ==> fs.inodes[ino].addrs[NDIRECT] != 0
    ensures Gained(sb, fs, ino, bn, fs') && BlockNo(sb, fs', ino, bn) == free
  {
    forall i | 0 <= i < sb.ninodes
      ensures fs'.inodes[i].addrs[NDIRECT] == fs.inodes[i].addrs[NDIRECT]
    {
      var d := Direct(i, NDIRECT);
      assert SlotVal(sb, fs', d) == SlotVal(sb, fs, d);
    }
  }

  lemma TookIndirect(sb: Super, fs: Fs, free: nat, owner: map<nat, Slot>, ino: nat, fs1: Fs, bn: nat, fs': Fs)
    requires Took(sb, fs, free, owner, Direct(ino, NDIRECT), fs1) && free != 0 && NDIRECT <= bn < MAXFILE
    requires Gained(sb, fs1, ino, bn, fs')
    ensures Gained(sb, fs, ino, bn, fs')
  {
    forall i | 0 <= i < sb.ninodes
      ensures fs1.inodes[i].addrs[NDIRECT] == if i == ino then free else fs.inodes[i].addrs[NDIRECT]
    {
      var d := Direct(i, NDIRECT);
      assert SlotVal(sb, fs1, d) == if i == ino then free else SlotVal(sb, fs, d);
    }
    forall i, b | 0 <= i < sb.ninodes && 0 <= b < MAXFILE ensures BlockNo(sb, fs1, i, b) == BlockNo(sb, fs, i, b) {
      assert IsSlot(sb, SlotFor(i, b));
    }
  }

  lemma HasAlready(sb: Super, fs: Fs, ino: nat, bn: nat)
    requires Shape(sb, fs) && ino < sb.ninodes && bn < MAXFILE && BlockNo(sb, fs, ino, bn) != 0
    ensures Gained(sb, fs, ino, bn, fs) && Grown(sb, fs, fs)
  {
  }

  lemma NeedsTurn(off: nat, len: nat)
    requires 1 <= len && off % BSIZE + len <= BSIZE
    ensures Needs(off + len) ==
      Needs(off) + (if off % BSIZE == 0 then 1 else 0) + (if off == NDIRECT * BSIZE then 1 else 0)
  {
    var q, r := off / BSIZE, off % BSIZE;
    assert off == q * BSIZE + r;
    assert (off + BSIZE - 1) / BSIZE == if r == 0 then q else q + 1;
    assert (off + len + BSIZE - 1) / BSIZE == q + 1;
  }

  lemma NeedsMore(a: nat, b: nat)
    requires a <= b
    ensures Needs(a) <= Needs(b)
  {
    assert (a + BSIZE - 1) / BSIZE <= (b + BSIZE - 1) / BSIZE;
  }

  /** A turn of `iappend` takes exactly the blocks by which the file's needs grow. */
  lemma TurnLays(sb: Super, fs: Fs, fs': Fs, ino: nat, off: nat, len: nat)
    requires Laid(sb, fs, ino, off) && Grown(sb, fs, fs') && off / BSIZE < MAXFILE
    requires Gained(sb, fs, ino, off / BSIZE, fs')
    requires 1 <= len && off % BSIZE + len <= BSIZE
    ensures Laid(sb, fs', ino, off + len)
  {
    hide BlockNo, FileByte;
    var q := off / BSIZE;
    assert off == q * BSIZE + off % BSIZE;
    forall i | 0 <= i < sb.ninodes
      ensures Exact(sb, fs', i, if i == ino then off + len else fs'.inodes[i].size)
    {
      assert Exact(sb, fs, i, if i == ino then off else fs.inodes[i].size);
    }
  }

  lemma TurnNeeds(sb: Super, fs: Fs, ino: nat, off: nat, len: nat)
    requires Laid(sb, fs, ino, off) && off / BSIZE < MAXFILE && 1 <= len && off % BSIZE + len <= BSIZE
    ensures Needs(off) + Missing(sb, fs, ino, off / BSIZE) == Needs(off + len)
  {
    hide BlockNo, Needs;
    assert Exact(sb, fs, ino, off);
    assert off == off / BSIZE * BSIZE + off % BSIZE;
    NeedsTurn(off, len);
  }

  /** Bytes stored in a block of a file: no slot and no unused block changes. */
  lemma PutKeepsMade(sb: Super, fs: Fs, free: nat, owner: map<nat, Slot>, ino: nat, bn: nat, d: Block, end: nat)
    requires Made(sb, fs, free, owner) && Laid(sb, fs, ino, end) && bn < MAXFILE && BlockNo(sb, fs, ino, bn) != 0
    ensures var a := BlockNo(sb, fs, ino, bn);
      a < sb.size && Made(sb, PutBlock(fs, a, d), free, owner) && Laid(sb, PutBlock(fs, a, d), ino, end)
  {
    var a := BlockNo(sb, fs, ino, bn);
    OwnedBelow(sb, fs, free, owner, SlotFor(ino, bn));
    PutBlockKeeps(sb, fs, Below(sb, free), owner, ino, bn, d);
    forall i | 0 <= i < sb.ninodes
      ensures Exact(sb, PutBlock(fs, a, d), i, if i == ino then end else fs.inodes[i].size)
    {
      assert Exact(sb, fs, i, if i == ino then end else fs.inodes[i].size);
      assert forall b :: 0 <= b < MAXFILE ==> BlockNo(sb, PutBlock(fs, a, d), i, b) == BlockNo(sb, fs, i, b);
    }
  }

  // ------------------------------------------------------------ whole files

  /** Every file has exactly the blocks its size needs, and they are zero past its end. */
  ghost predicate Tidy(sb: Super, fs: Fs) {
    && Shape(sb, fs)
    && (forall i :: 0 <= i < sb.ninodes ==>
          fs.inodes[i].size <= MAXFILE * BSIZE && Exact(sb, fs, i, fs.inodes[i].size))
    && (forall i, k :: 0 <= i < sb.ninodes && fs.inodes[i].size <= k < MAXFILE * BSIZE ==>
          FileByte(sb, fs, i, k) == 0)
  }

  lemma TidyHasNoHoles(sb: Super, fs: Fs)
    requires Tidy(sb, fs)
    ensures NoHoles(sb, fs)
  {
    forall i, bn | 0 <= i < sb.ninodes && 0 <= bn < MAXFILE && bn * BSIZE < fs.inodes[i].size
      ensures BlockNo(sb, fs, i, bn) != 0
    {
      assert Exact(sb, fs, i, fs.inodes[i].size);
    }
  }

  /** The contents of all files, by inode number. */
  ghost function Files(sb: Super, fs: Fs): (t: seq<seq<Byte>>)
    requires Shape(sb, fs) && NoHoles(sb, fs)
    ensures |t| == sb.ninodes && forall i :: 0 <= i < sb.ninodes ==> |t[i]| == fs.inodes[i].size
  {
    seq(sb.ninodes, i requires 0 <= i < sb.ninodes => Content(sb, fs, i))
  }

  /** What `iappend` promises: these bytes at the end of this file, all other files as before. */
  ghost predicate Appended(sb: Super, fs: Fs, fs': Fs, ino: nat, bytes: seq<Byte>) {
    && Shape(sb, fs) && Shape(sb, fs') && NoHoles(sb, fs) && NoHoles(sb, fs') && ino < sb.ninodes
    && Files(sb, fs') == Files(sb, fs)[ino := Files(sb, fs)[ino] + bytes]
    && (forall i :: 0 <= i < sb.ninodes && i != ino ==> fs'.inodes[i] == fs.inodes[i])
  }

  lemma AppendEnds(sb: Super, fs0: Fs, fs: Fs, free: nat, owner: map<nat, Slot>, ino: nat, off: nat, bytes: seq<Byte>)
    requires Tidy(sb, fs0) && Made(sb, fs, free, owner) && ino < sb.ninodes
    requires off == fs0.inodes[ino].size && Laid(sb, fs, ino, off + |bytes|)
    requires Written(sb, fs0, fs, ino, off, bytes)
    requires forall i :: 0 <= i < sb.ninodes && i != ino ==> fs.inodes[i] == fs0.inodes[i]
    ensures var fs' := WithSize(fs, ino, off + |bytes|);
      Made(sb, fs', free, owner) && Tidy(sb, fs') && Appended(sb, fs0, fs', ino, bytes)
  {
    hide Owned, Written, NoHoles, FileByte, BlockNo, Exact, WriteDone;
    var end := off + |bytes|;
    var fs' := WithSize(fs, ino, end);
    SizeKeeps(sb, fs, Below(sb, free), owner, ino, end);
    AppendTidy(sb, fs0, fs, free, owner, ino, off, bytes);
    TidyHasNoHoles(sb, fs0);
    TidyHasNoHoles(sb, fs');
    SameSize(sb, fs0, fs, ino, off, bytes);
    var g := Book(Below(sb, free), owner, {});
    WrittenContent(sb, fs0, fs, g, ino, off, bytes);
    AppendContent(sb, fs0, fs', ino, bytes);
  }

  lemma SameSize(sb: Super, fs0: Fs, fs: Fs, ino: nat, off: nat, bytes: seq<Byte>)
    requires Written(sb, fs0, fs, ino, off, bytes) && off == fs0.inodes[ino].size
    ensures Resized(fs, ino, off + |bytes|) == WithSize(fs, ino, off + |bytes|)
  {
    hide BlockNo, FileByte;
    if bytes == [] {
      var ip := fs.inodes[ino];
      assert fs.inodes[ino := ip.(size := off)] == fs.inodes;
    }
  }

  lemma AppendContent(sb: Super, fs0: Fs, fs': Fs, ino: nat, bytes: seq<Byte>)
    requires Shape(sb, fs0) && NoHoles(sb, fs0) && Shape(sb, fs') && NoHoles(sb, fs') && ino < sb.ninodes
    requires WriteDone(sb, fs0, fs', ino, fs0.inodes[ino].size, bytes)
    ensures Files(sb, fs') == Files(sb, fs0)[ino := Files(sb, fs0)[ino] + bytes]
  {
    hide FileByte, BlockNo;
    assert Content(sb, fs', ino) == Content(sb, fs0, ino) + bytes by { SplicedEnd(Content(sb, fs0, ino), bytes); }
  }

  lemma SplicedEnd(c: seq<Byte>, bytes: seq<Byte>)
    ensures Spliced(c, |c|, bytes) == c + bytes
  {
  }

  lemma AppendTidy(sb: Super, fs0: Fs, fs: Fs, free: nat, owner: map<nat, Slot>, ino: nat, off: nat, bytes: seq<Byte>)
    requires Tidy(sb, fs0) && Made(sb, fs, free, owner) && ino < sb.ninodes
    requires off == fs0.inodes[ino].size && Laid(sb, fs, ino, off + |bytes|)
    requires Written(sb, fs0, fs, ino, off, bytes)
    ensures Tidy(sb, WithSize(fs, ino, off + |bytes|))
  {
    hide Owned, FileByte, BlockNo;
    var end := off + |bytes|;
    var fs' := WithSize(fs, ino, end);
    SizeKeeps(sb, fs, Below(sb, free), owner, ino, end);
    forall i | 0 <= i < sb.ninodes ensures Exact(sb, fs', i, fs'.inodes[i].size) {
      assert Exact(sb, fs, i, if i == ino then end else fs.inodes[i].size);
      assert forall bn :: 0 <= bn < MAXFILE ==> BlockNo(sb, fs', i, bn) == BlockNo(sb, fs, i, bn);
    }
    forall i, k | 0 <= i < sb.ninodes && fs'.inodes[i].size <= k < MAXFILE * BSIZE
      ensures FileByte(sb, fs', i, k) == 0
    {
      assert FileByte(sb, fs', i, k) == FileByte(sb, fs, i, k) == FileByte(sb, fs0, i, k);
    }
  }

  lemma LaidInode(sb: Super, fs: Fs, ino: nat, end: nat)
    requires Laid(sb, fs, ino, end)
    ensures ino < sb.ninodes
  {
  }

  lemma AppendStart(sb: Super, fs: Fs, ino: nat)
    requires Tidy(sb, fs) && ino < sb.ninodes
    ensures Laid(sb, fs, ino, fs.inodes[ino].size) && Written(sb, fs, fs, ino, fs.inodes[ino].size, [])
  {
  }

  // ----------------------------------------------------------------- bitmap

  lemma {:induction false} NoBits(k: nat)
    ensures !BitOf(0, k)
  {
    if k > 0 { NoBits(k - 1); }
  }

  /** The first `n` bits of a block are set and no others. */
  ghost predicate FirstBits(buf: Block, n: nat) {
    forall b :: 0 <= b < BPB ==> BitOf(buf[b / 8], b % 8) == (b < n)
  }

  lemma NoFirstBits()
    ensures FirstBits(ZeroBlock(), 0)
  {
    forall b | 0 <= b < BPB ensures !BitOf(ZeroBlock()[b / 8], b % 8) { NoBits(b % 8); }
  }

  lemma OneMoreBit(buf: Block, i: nat)
    requires FirstBits(buf, i) && i < BPB
    ensures FirstBits(buf[i / 8 := SetByteBit(buf[i / 8], i % 8, true)], i + 1)
  {
    var buf' := buf[i / 8 := SetByteBit(buf[i / 8], i % 8, true)];
    forall b | 0 <= b < BPB ensures BitOf(buf'[b / 8], b % 8) == (b < i + 1) {
      assert BitOf(buf[b / 8], b % 8) == (b < i);
      if b / 8 == i / 8 && b % 8 != i % 8 {
        SetBitOfOther(buf[i / 8], i % 8, true, b % 8);
      }
    }
  }

  /** The loop of `balloc`. */
  method UsedBits(used: nat) returns (buf: Block)
    requires used < BPB
    ensures FirstBits(buf, used)
  {
    hide FirstBits;
    var i := 0;
    buf := ZeroBlock();
    NoFirstBits();
    while i < used
      invariant 0 <= i <= used && FirstBits(buf, i)
    {
      OneMoreBit(buf, i);
      buf := buf[i / 8 := SetByteBit(buf[i / 8], i % 8, true)];
      i := i + 1;
    }
  }

  /** The bitmap block that `balloc` writes makes the image's bitmap agree with the owners. */
  lemma BitmapMatches(sb: Super, fs: Fs, free: nat, owner: map<nat, Slot>, buf: Block)
    requires Made(sb, fs, free, owner) && free < BPB && FirstBits(buf, free)
    ensures sb.bmapstart < sb.dstart && BitsMatch(sb, fs.data[sb.bmapstart := buf], Below(sb, free))
  {
    hide Owned, BitOf;
    var data := fs.data[sb.bmapstart := buf];
    forall b | 0 <= b < sb.size ensures Below(sb, free)[b] == Bit(sb, data, b) {
      BitmapBit(sb, fs, free, owner, buf, b);
    }
  }

  lemma BitmapBit(sb: Super, fs: Fs, free: nat, owner: map<nat, Slot>, buf: Block, b: nat)
    requires Made(sb, fs, free, owner) && free < BPB && FirstBits(buf, free) && b < sb.size
    ensures sb.BBlock(b) < sb.dstart && sb.bmapstart < sb.dstart
    ensures Bit(sb, fs.data[sb.bmapstart := buf], b) == (b < free)
  {
    hide Owned, BitOf;
    BBlockIsNotData(sb, b);
    if b < BPB {
      SmallBit(b);
    } else {
      LaterBit(b);
      assert fs.data[sb.BBlock(b)] == ZeroBlock();
      NoBits(b % 8);
    }
  }

  lemma SmallBit(b: nat)
    requires b < BPB
    ensures b / BPB == 0 && b % BPB == b
  {
  }

  lemma LaterBit(b: nat)
    requires b >= BPB
    ensures b / BPB > 0
  {
  }

  lemma BitmapKeeps(sb: Super, fs: Fs, free: nat, owner: map<nat, Slot>, buf: Block)
    requires Made(sb, fs, free, owner)
    ensures sb.bmapstart < sb.dstart
    ensures var fs' := PutBlock(fs, sb.bmapstart, buf);
      && Owned(sb, fs', Below(sb, free), owner, {}) && fs'.inodes == fs.inodes
      && (forall i, bn :: 0 <= i < sb.ninodes && 0 <= bn < MAXFILE ==>
            BlockNo(sb, fs', i, bn) == BlockNo(sb, fs, i, bn))
      && (forall i, k :: 0 <= i < sb.ninodes && 0 <= k < MAXFILE * BSIZE ==>
            FileByte(sb, fs', i, k) == FileByte(sb, fs, i, k))
  {
    hide SlotVal, Owned, FileByte;
    var fs' := PutBlock(fs, sb.bmapstart, buf);
    BitmapOwned(sb, fs, free, owner, buf);
    forall i, k | 0 <= i < sb.ninodes && 0 <= k < MAXFILE * BSIZE
      ensures FileByte(sb, fs', i, k) == FileByte(sb, fs, i, k)
    {
      BitmapByte(sb, fs, free, owner, buf, i, k);
    }
  }

  lemma BitmapOwned(sb: Super, fs: Fs, free: nat, owner: map<nat, Slot>, buf: Block)
    requires Made(sb, fs, free, owner) && sb.bmapstart < sb.dstart
    ensures Owned(sb, PutBlock(fs, sb.bmapstart, buf), Below(sb, free), owner, {})
    ensures Shape(sb, PutBlock(fs, sb.bmapstart, buf))
    ensures forall s :: IsSlot(sb, s) ==> SlotVal(sb, PutBlock(fs, sb.bmapstart, buf), s) == SlotVal(sb, fs, s)
  {
    hide SlotVal;
    var fs' := PutBlock(fs, sb.bmapstart, buf);
    SlotsKeep(sb, fs, fs'.data, Below(sb, free), owner, {});
    assert fs' == Fs(fs'.data, fs.inodes);
  }

  lemma BitmapByte(sb: Super, fs: Fs, free: nat, owner: map<nat, Slot>, buf: Block, i: nat, k: nat)
    requires Made(sb, fs, free, owner) && sb.bmapstart < sb.dstart && i < sb.ninodes && k < MAXFILE * BSIZE
    ensures Shape(sb, PutBlock(fs, sb.bmapstart, buf))
    ensures FileByte(sb, PutBlock(fs, sb.bmapstart, buf), i, k) == FileByte(sb, fs, i, k)
  {
    hide SlotVal;
    var fs' := PutBlock(fs, sb.bmapstart, buf);
    SlotsKeep(sb, fs, fs'.data, Below(sb, free), owner, {});
    assert fs' == Fs(fs'.data, fs.inodes);
    var s := SlotFor(i, k / BSIZE);
    assert IsSlot(sb, s) && SlotVal(sb, fs', s) == SlotVal(sb, fs, s);
  }

  // ------------------------------------------------------------- the program

  const ROOTINO := 1
  const DIRSIZ := 14
  const DIRENT := 16

  /** A file for the image: its name without directory and underscore, and what each `read` of it returned. */
  datatype File = File(name: seq<Byte>, chunks: seq<seq<Byte>>)

  function Join(chunks: seq<seq<Byte>>): seq<Byte> {
    if chunks == [] then [] else Join(chunks[..|chunks| - 1]) + chunks[|chunks| - 1]
  }

  /** A directory entry: 16-bit inode number, then the name cut or filled to DIRSIZ bytes. */
  function Dirent(inum: nat, name: seq<Byte>): (d: seq<Byte>)
    ensures |d| == DIRENT
  {
    [inum % 0x100, inum / 0x100 % 0x100] + seq(DIRSIZ, k requires 0 <= k => if k < |name| then name[k] else 0)
  }

  /** The root directory: `.`, `..` and the files, numbered from 2. */
  function Root(files: seq<File>): (r: seq<Byte>)
    ensures |r| == (|files| + 2) * DIRENT
  {
    if files == [] then Dirent(ROOTINO, [0x2e]) + Dirent(ROOTINO, [0x2e, 0x2e])
    else Root(files[..|files| - 1]) + Dirent(|files| + 1, files[|files| - 1].name)
  }

  /** Entry `k + 2` of the root directory is the one of file `k`. */
  lemma {:induction false} RootEntry(files: seq<File>, k: nat)
    requires k < |files|
    ensures Root(files)[(k + 2) * DIRENT..(k + 3) * DIRENT] == Dirent(k + 2, files[k].name)
    decreases |files|
  {
    hide Dirent;
    var n := |files| - 1;
    if k < n {
      RootEntry(files[..n], k);
      var a, b := Root(files[..n]), Root(files);
      assert b[(k + 2) * DIRENT..(k + 3) * DIRENT] == a[(k + 2) * DIRENT..(k + 3) * DIRENT];
    }
  }

  /** The blocks of all files together. */
  function AllNeed(files: seq<File>): nat {
    if files == [] then 0
    else AllNeed(files[..|files| - 1]) + Needs(|Join(files[|files| - 1].chunks)|)
  }

  /** No file is longer than an inode can say. */
  ghost predicate ShortEnough(files: seq<File>) {
    |Root(files)| <= MAXFILE * BSIZE && forall k :: 0 <= k < |files| ==> |Join(files[k].chunks)| <= MAXFILE * BSIZE
  }

  /** The disk has room for these files. */
  ghost predicate Fits(sb: Super, files: seq<File>) {
    ShortEnough(files) && sb.dstart + BlocksFor(files) <= sb.size
  }

  lemma FitsBefore(sb: Super, files: seq<File>)
    requires Fits(sb, files) && files != []
    ensures Fits(sb, files[..|files| - 1])
  {
    NeedsMore(|Root(files[..|files| - 1])|, |Root(files)|);
  }

  lemma {:induction false} FitsPrefix(sb: Super, files: seq<File>, n: nat)
    requires Fits(sb, files) && n <= |files|
    ensures Fits(sb, files[..n])
    decreases |files|
  {
    if n < |files| {
      FitsBefore(sb, files);
      FitsPrefix(sb, files[..|files| - 1], n);
      assert files[..|files| - 1][..n] == files[..n];
    } else {
      assert files[..n] == files;
    }
  }

  lemma {:induction false} JoinPrefix(chunks: seq<seq<Byte>>, n: nat)
    requires n <= |chunks|
    ensures |Join(chunks[..n])| <= |Join(chunks)|
    decreases |chunks|
  {
    if n < |chunks| {
      JoinPrefix(chunks[..|chunks| - 1], n);
      assert chunks[..|chunks| - 1][..n] == chunks[..n];
    } else {
      assert chunks[..n] == chunks;
    }
  }

  lemma JoinNext(chunks: seq<seq<Byte>>, i: nat)
    requires i < |chunks|
    ensures Join(chunks[..i + 1]) == Join(chunks[..i]) + chunks[i]
    ensures |Join(chunks[..i])| + |chunks[i]| <= |Join(chunks)|
  {
    assert chunks[..i + 1][..i] == chunks[..i];
    JoinPrefix(chunks, i + 1);
  }

  /** The files and the root directory are in place. */
  ghost predicate Holds(t: seq<seq<Byte>>, files: seq<File>) {
    && |files| + 2 <= |t| && t[ROOTINO] == Root(files)
    && (forall k :: 0 <= k < |files| ==> t[k + 2] == Join(files[k].chunks))
  }

  function BlocksFor(files: seq<File>): nat {
    Needs(|Root(files)|) + AllNeed(files)
  }

  lemma AppendedTwice(sb: Super, fs: Fs, gs: Fs, hs: Fs, ino: nat, a: seq<Byte>, b: seq<Byte>)
    requires Appended(sb, fs, gs, ino, a) && Appended(sb, gs, hs, ino, b)
    ensures Appended(sb, fs, hs, ino, a + b)
  {
    hide NoHoles, Files;
    assert Files(sb, fs)[ino] + a + b == Files(sb, fs)[ino] + (a + b);
  }

  lemma AppendedNothing(sb: Super, fs: Fs, ino: nat)
    requires Shape(sb, fs) && NoHoles(sb, fs) && ino < sb.ninodes
    ensures Appended(sb, fs, fs, ino, [])
  {
    hide NoHoles, Files;
    assert Files(sb, fs)[ino] + [] == Files(sb, fs)[ino];
  }

  /** The turn of `main` for one file, on contents. */
  lemma HoldsNext(t: seq<seq<Byte>>, t1: seq<seq<Byte>>, t2: seq<seq<Byte>>, files: seq<File>, f: File)
    requires Holds(t, files) && |files| + 2 < |t| && t[|files| + 2] == []
    requires t1 == t[ROOTINO := t[ROOTINO] + Dirent(|files| + 2, f.name)]
    requires t2 == t1[|files| + 2 := t1[|files| + 2] + Join(f.chunks)]
    ensures Holds(t2, files + [f])
  {
    hide Dirent, Join;
    var more := files + [f];
    assert more[..|files|] == files && more[|files|] == f;
    assert [] + Join(f.chunks) == Join(f.chunks);
  }

  lemma BlocksForNext(files: seq<File>, f: File)
    ensures |Root(files + [f])| == |Root(files)| + DIRENT
    ensures AllNeed(files + [f]) == AllNeed(files) + Needs(|Join(f.chunks)|)
    ensures Needs(|Root(files)|) <= Needs(|Root(files + [f])|)
  {
    assert (files + [f])[..|files|] == files;
    NeedsMore(|Root(files)|, |Root(files + [f])|);
  }

  // ------------------------------------------------------------ the last steps

  function Zeros(n: nat): seq<Byte> {
    seq(n, _ => 0)
  }

  /** The root directory's size is rounded up to the next whole block, even if it is whole already. */
  function Rounded(fs: Fs): Fs
    requires ROOTINO < |fs.inodes|
  {
    WithSize(fs, ROOTINO, (fs.inodes[ROOTINO].size / BSIZE + 1) * BSIZE)
  }

  ghost predicate HasBytes(sb: Super, fs: Fs, i: nat, bytes: seq<Byte>)
    requires Shape(sb, fs)
  {
    i < sb.ninodes && fs.inodes[i].size <= MAXFILE * BSIZE && Content(sb, fs, i) == bytes
  }

  /**
   What the kernel finds: every file as given, and no file with a missing block exactly if the
   root directory's entries do not fill whole blocks; then it is followed by free entries.
   */
  ghost predicate Finished(sb: Super, fs: Fs, files: seq<File>) {
    && Shape(sb, fs) && ROOTINO < sb.ninodes && fs.inodes[ROOTINO].size == |Root(files)| + BSIZE - |Root(files)| % BSIZE
    && (forall k :: 0 <= k < |files| ==> HasBytes(sb, fs, k + 2, Join(files[k].chunks)))
    && (NoHoles(sb, fs) <==> |Root(files)| % BSIZE != 0)
    && (NoHoles(sb, fs) ==> HasBytes(sb, fs, ROOTINO, Root(files) + Zeros(BSIZE - |Root(files)| % BSIZE)))
  }

  lemma RoundedUp(off: nat)
    ensures off < (off / BSIZE + 1) * BSIZE == off + BSIZE - off % BSIZE
    ensures off % BSIZE != 0 ==> off / BSIZE * BSIZE < off
    ensures off % BSIZE == 0 ==> off / BSIZE * BSIZE == off
  {
  }

  /** Rounding leaves a hole exactly if the directory was whole. */
  lemma RoundedHoles(sb: Super, fs: Fs, free: nat, owner: map<nat, Slot>)
    requires Made(sb, fs, free, owner) && Tidy(sb, fs) && ROOTINO < sb.ninodes
    ensures Shape(sb, Rounded(fs)) && (NoHoles(sb, Rounded(fs)) <==> fs.inodes[ROOTINO].size % BSIZE != 0)
  {
    hide Owned, FileByte, BlockNo;
    var off, fs' := fs.inodes[ROOTINO].size, Rounded(fs);
    var q := off / BSIZE;
    RoundedUp(off);
    SizeKeeps(sb, fs, Below(sb, free), owner, ROOTINO, fs'.inodes[ROOTINO].size);
    if off % BSIZE == 0 {
      assert q < MAXFILE ==> Exact(sb, fs, ROOTINO, off) && BlockNo(sb, fs', ROOTINO, q) == 0;
    } else {
      forall i, bn | 0 <= i < sb.ninodes && 0 <= bn < MAXFILE && bn * BSIZE < fs'.inodes[i].size
        ensures BlockNo(sb, fs', i, bn) != 0
      {
        assert Exact(sb, fs, i, fs.inodes[i].size);
      }
    }
  }

  lemma RoundedContent(sb: Super, fs: Fs, free: nat, owner: map<nat, Slot>, i: nat)
    requires Made(sb, fs, free, owner) && Tidy(sb, fs) && ROOTINO < sb.ninodes && i < sb.ninodes
    requires Shape(sb, Rounded(fs)) && Rounded(fs).inodes[i].size <= MAXFILE * BSIZE
    ensures var off := fs.inodes[ROOTINO].size;
      Content(sb, Rounded(fs), i) == Content(sb, fs, i) + if i == ROOTINO then Zeros(BSIZE - off % BSIZE) else []
  {
    hide Owned, FileByte, BlockNo, Exact;
    var off, fs' := fs.inodes[ROOTINO].size, Rounded(fs);
    RoundedUp(off);
    SizeKeeps(sb, fs, Below(sb, free), owner, ROOTINO, fs'.inodes[ROOTINO].size);
    var c, c' := Content(sb, fs, i), Content(sb, fs', i);
    assert forall k :: 0 <= k < |c'| ==> c'[k] == FileByte(sb, fs, i, k);
  }

  lemma FileHasBytes(sb: Super, fs: Fs, i: nat)
    requires Shape(sb, fs) && NoHoles(sb, fs) && i < sb.ninodes
    ensures HasBytes(sb, fs, i, Files(sb, fs)[i])
  {
  }

  lemma RoundedHasBytes(sb: Super, fs: Fs, free: nat, owner: map<nat, Slot>, i: nat, bytes: seq<Byte>)
    requires Made(sb, fs, free, owner) && Tidy(sb, fs) && ROOTINO < sb.ninodes && i != ROOTINO
    requires Shape(sb, Rounded(fs)) && HasBytes(sb, fs, i, bytes)
    ensures HasBytes(sb, Rounded(fs), i, bytes)
  {
    hide Owned, Tidy, Content;
    RoundedContent(sb, fs, free, owner, i);
  }

  lemma RoundedRoot(sb: Super, fs: Fs, free: nat, owner: map<nat, Slot>, bytes: seq<Byte>)
    requires Made(sb, fs, free, owner) && Tidy(sb, fs) && HasBytes(sb, fs, ROOTINO, bytes)
    requires Shape(sb, Rounded(fs)) && NoHoles(sb, Rounded(fs)) && fs.inodes[ROOTINO].size == |bytes|
    ensures HasBytes(sb, Rounded(fs), ROOTINO, bytes + Zeros(BSIZE - |bytes| % BSIZE))
  {
    hide Owned, Tidy, Content;
    RoundedContent(sb, fs, free, owner, ROOTINO);
  }

  lemma RoundedFinished(sb: Super, fs: Fs, free: nat, owner: map<nat, Slot>, files: seq<File>)
    requires Made(sb, fs, free, owner) && Tidy(sb, fs) && NoHoles(sb, fs) && Holds(Files(sb, fs), files)
    ensures Made(sb, Rounded(fs), free, owner) && Finished(sb, Rounded(fs), files)
  {
    hide Owned, Tidy, NoHoles, HasBytes, Files, Root, Join, Zeros;
    SizeKeeps(sb, fs, Below(sb, free), owner, ROOTINO, Rounded(fs).inodes[ROOTINO].size);
    RoundedHoles(sb, fs, free, owner);
    forall k | 0 <= k < |files| ensures HasBytes(sb, Rounded(fs), k + 2, Join(files[k].chunks)) {
      FileHasBytes(sb, fs, k + 2);
      RoundedHasBytes(sb, fs, free, owner, k + 2, Join(files[k].chunks));
    }
    FileHasBytes(sb, fs, ROOTINO);
    RoundedUp(fs.inodes[ROOTINO].size);
    if NoHoles(sb, Rounded(fs)) {
      RoundedRoot(sb, fs, free, owner, Root(files));
    }
  }

  /** Writing the bitmap changes no file. */
  lemma BitmapFinished(sb: Super, fs: Fs, free: nat, owner: map<nat, Slot>, files: seq<File>, buf: Block)
    requires Made(sb, fs, free, owner) && Finished(sb, fs, files)
    ensures sb.bmapstart < sb.dstart && Finished(sb, PutBlock(fs, sb.bmapstart, buf), files)
  {
    hide Owned, NoHoles, HasBytes, Root, Join, Zeros;
    BitmapKeeps(sb, fs, free, owner, buf);
    var fs' := PutBlock(fs, sb.bmapstart, buf);
    assert NoHoles(sb, fs') <==> NoHoles(sb, fs) by { SameHoles(sb, fs, fs'); }
    forall k | 0 <= k < |files| ensures HasBytes(sb, fs', k + 2, Join(files[k].chunks)) {
      SameBytes(sb, fs, fs', k + 2, Join(files[k].chunks));
    }
    if NoHoles(sb, fs) {
      SameBytes(sb, fs, fs', ROOTINO, Root(files) + Zeros(BSIZE - |Root(files)| % BSIZE));
    }
  }

  lemma SameHoles(sb: Super, fs: Fs, fs': Fs)
    requires Shape(sb, fs) && Shape(sb, fs') && fs'.inodes == fs.inodes
    requires forall i, bn :: 0 <= i < sb.ninodes && 0 <= bn < MAXFILE ==>
      BlockNo(sb, fs', i, bn) == BlockNo(sb, fs, i, bn)
    ensures NoHoles(sb, fs') <==> NoHoles(sb, fs)
  {
  }

  lemma SameBytes(sb: Super, fs: Fs, fs': Fs, i: nat, bytes: seq<Byte>)
    requires Shape(sb, fs) && Shape(sb, fs') && fs'.inodes == fs.inodes && HasBytes(sb, fs, i, bytes)
    requires forall i, k :: 0 <= i < sb.ninodes && 0 <= k < MAXFILE * BSIZE ==>
      FileByte(sb, fs', i, k) == FileByte(sb, fs, i, k)
    ensures HasBytes(sb, fs', i, bytes)
  {
    hide FileByte;
    assert Content(sb, fs', i) == Content(sb, fs, i);
  }

  /** How the program ends: it may die reading past the end of the disk, or fail an assertion. */
  datatype End = Success | Died | Aborted

  class Image {
    const sb: Super
    var fs: Fs
    var freeblock: nat
    var freeinode: nat
    ghost var owner: map<nat, Slot>

    ghost predicate Valid()
      reads this
    {
      && Made(sb, fs, freeblock, owner) && Tidy(sb, fs) && NoHoles(sb, fs)
      && (forall i :: 0 <= i < sb.ninodes && i >= freeinode ==> fs.inodes[i] == EMPTY_INODE)
    }

    /** Nothing before the data area has been written: the bitmap is still empty. */
    ghost predicate Blank()
      reads this
    {
      |fs.data| == sb.size && forall a :: 0 <= a < sb.dstart && a < sb.size ==> fs.data[a] == ZeroBlock()
    }

    /** The program has died at block number `sb.size`, the first one past the end. */
    ghost predicate AtTheEnd()
      reads this
    {
      Blank() && freeblock == sb.size + 1
    }

    /** An image of zeroes. */
    constructor (sb: Super)
      requires sb.Valid()
      ensures this.sb == sb && Valid() && freeblock == sb.dstart && freeinode == 1
    {
      this.sb := sb;
      fs := Fs(seq(sb.size, _ => ZeroBlock()), seq(sb.ninodes, _ => EMPTY_INODE));
      freeblock := sb.dstart;
      freeinode := 1;
      owner := map[];
    }

    /** `ialloc`: the next inode, empty. */
    method Ialloc() returns (inum: nat)
      requires Valid() && freeinode < sb.ninodes
      modifies this
      ensures Valid() && inum == old(freeinode) && freeinode == inum + 1
      ensures fs == old(fs) && freeblock == old(freeblock) && fs.inodes[inum] == EMPTY_INODE
    {
      inum := freeinode;
      freeinode := freeinode + 1;
      assert fs.inodes[inum := EMPTY_INODE] == fs.inodes;
      fs := fs.(inodes := fs.inodes[inum := EMPTY_INODE]);
    }

    /**
     The disk block of block `bn` of a file; the next free blocks become what is missing. Every
     block is read before it is used, so a block number past the end of the disk ends the program.
     */
    method Fetch(ino: nat, bn: nat) returns (r: End, x: nat)
      requires Made(sb, fs, freeblock, owner) && ino < sb.ninodes && bn < MAXFILE
      modifies this
      ensures r == if freeblock <= sb.size then Success else Died
      ensures r.Success? <==> old(freeblock) + Missing(sb, old(fs), ino, bn) <= sb.size
      ensures r.Died? ==> AtTheEnd()
      ensures r.Success? ==> Fetched(old(fs), old(freeblock), ino, bn, x) && freeinode == old(freeinode)
    {
      hide Owned, Grown, Gained;
      if bn < NDIRECT {
        r, x := FetchDirect(ino, bn);
      } else if fs.inodes[ino].addrs[NDIRECT] == 0 {
        ghost var fs0, free0, owner0 := fs, freeblock, owner;
        if freeblock >= sb.size {
          freeblock := freeblock + 1;
          return Died, 0;
        }
        TakeDirect(sb, fs, freeblock, owner, ino, NDIRECT);
        fs, owner := SetAddr(fs, ino, NDIRECT, freeblock), owner[freeblock := Direct(ino, NDIRECT)];
        freeblock := freeblock + 1;
        ghost var fs1 := fs;
        assert IsSlot(sb, SlotFor(ino, bn)) && BlockNo(sb, fs1, ino, bn) == BlockNo(sb, fs0, ino, bn) == 0;
        r, x := FetchEntry(ino, bn);
        if r.Success? {
          GrownTransitive(sb, fs0, fs1, fs);
          TookIndirect(sb, fs0, free0, owner0, ino, fs1, bn, fs);
        }
      } else {
        r, x := FetchEntry(ino, bn);
      }
    }

    /** What a `Fetch` that the program survives has done. */
    ghost predicate Fetched(fs0: Fs, free0: nat, ino: nat, bn: nat, x: nat)
      requires Shape(sb, fs0) && ino < sb.ninodes && bn < MAXFILE
      reads this
    {
      && Made(sb, fs, freeblock, owner) && freeblock == free0 + Missing(sb, fs0, ino, bn)
      && Grown(sb, fs0, fs) && Gained(sb, fs0, ino, bn, fs) && x == BlockNo(sb, fs, ino, bn) && x != 0
      && forall i :: 0 <= i < sb.ninodes && i != ino ==> fs.inodes[i] == fs0.inodes[i]
    }

    method FetchDirect(ino: nat, bn: nat) returns (r: End, x: nat)
      requires Made(sb, fs, freeblock, owner) && ino < sb.ninodes && bn < NDIRECT
      modifies this
      ensures r == if freeblock <= sb.size then Success else Died
      ensures r.Success? <==> old(freeblock) + Missing(sb, old(fs), ino, bn) <= sb.size
      ensures r.Died? ==> AtTheEnd()
      ensures r.Success? ==> Fetched(old(fs), old(freeblock), ino, bn, x) && freeinode == old(freeinode)
    {
      hide Owned, Grown, Gained;
      if fs.inodes[ino].addrs[bn] == 0 {
        if freeblock >= sb.size {
          freeblock := freeblock + 1;
          return Died, 0;
        }
        TakeDirect(sb, fs, freeblock, owner, ino, bn);
        TookGains(sb, fs, freeblock, owner, ino, bn, SetAddr(fs, ino, bn, freeblock));
        fs, owner := SetAddr(fs, ino, bn, freeblock), owner[freeblock := Direct(ino, bn)];
        freeblock := freeblock + 1;
      } else {
        HasAlready(sb, fs, ino, bn);
      }
      return Success, fs.inodes[ino].addrs[bn];
    }

    /** The indirect block gets the number of a new block before that block is read. */
    method FetchEntry(ino: nat, bn: nat) returns (r: End, x: nat)
      requires Made(sb, fs, freeblock, owner) && ino < sb.ninodes && NDIRECT <= bn < MAXFILE
      requires fs.inodes[ino].addrs[NDIRECT] != 0
      modifies this
      ensures r == if freeblock <= sb.size then Success else Died
      ensures r.Success? <==> old(freeblock) + Missing(sb, old(fs), ino, bn) <= sb.size
      ensures r.Died? ==> AtTheEnd()
      ensures r.Success? ==> Fetched(old(fs), old(freeblock), ino, bn, x)
      ensures fs.inodes == old(fs).inodes && freeinode == old(freeinode)
    {
      hide Owned, Grown, Gained;
      var ind, j := fs.inodes[ino].addrs[NDIRECT], bn - NDIRECT;
      OwnedBelow(sb, fs, freeblock, owner, Direct(ino, NDIRECT));
      x := Word(fs.data[ind], j);
      if x == 0 {
        x := freeblock;
        freeblock := freeblock + 1;
        if x >= sb.size {
          fs := SetEntry(fs, ind, j, x);
          return Died, x;
        }
        TakeEntry(sb, fs, x, owner, ino, j);
        TookGains(sb, fs, x, owner, ino, bn, SetEntry(fs, ind, j, x));
        fs, owner := SetEntry(fs, ind, j, x), owner[x := Indirect(ino, j)];
      } else {
        HasAlready(sb, fs, ino, bn);
      }
      return Success, x;
    }

    /** One turn of `iappend`. */
    method AppendTurn(ino: nat, off: nat, chunk: seq<Byte>) returns (r: End)
      requires Made(sb, fs, freeblock, owner) && Laid(sb, fs, ino, off) && off / BSIZE < MAXFILE
      requires 1 <= |chunk| && off % BSIZE + |chunk| <= BSIZE && off + |chunk| <= MAXFILE * BSIZE
      modifies this
      ensures r == if old(freeblock) + Needs(off + |chunk|) <= sb.size + Needs(off) then Success else Died
      ensures r.Died? ==> AtTheEnd()
      ensures r.Success? ==>
        && Made(sb, fs, freeblock, owner) && Laid(sb, fs, ino, off + |chunk|) && freeinode == old(freeinode)
        && freeblock + Needs(off) == old(freeblock) + Needs(off + |chunk|)
        && Written(sb, old(fs), fs, ino, off, chunk)
        && forall i :: 0 <= i < sb.ninodes && i != ino ==> fs.inodes[i] == old(fs).inodes[i]
    {
      hide Owned, Grown, Gained, Laid, Written, Needs, Missing;
      ghost var fs0 := fs;
      assert ino < sb.ninodes by { LaidInode(sb, fs, ino, off); }
      TurnNeeds(sb, fs, ino, off, |chunk|);
      var x;
      r, x := Fetch(ino, off / BSIZE);
      if r.Died? {
        return;
      }
      TurnLays(sb, fs0, fs, ino, off, |chunk|);
      ghost var fs1 := fs;
      OwnedBelow(sb, fs, freeblock, owner, SlotFor(ino, off / BSIZE));
      GrownPut(sb, fs0, fs1, Below(sb, freeblock), owner, ino, off, chunk);
      PutKeepsMade(sb, fs1, freeblock, owner, ino, off / BSIZE, Splice(fs1.data[x], off % BSIZE, chunk), off + |chunk|);
      fs := PutBlock(fs, x, Splice(fs.data[x], off % BSIZE, chunk));
    }

    /** Does a file of `size` bytes have room to grow to `end`? */
    ghost predicate RoomFor(free: nat, size: nat, end: nat) {
      end <= MAXFILE * BSIZE && free + Needs(end) <= sb.size + Needs(size)
    }

    /**
     `iappend`: the bytes go to the end of the file, in as many new blocks as it needs more. The
     program goes on exactly if the file may get that long and the disk has these blocks.
     */
    method Iappend(ino: nat, bytes: seq<Byte>) returns (r: End)
      requires Valid() && ino < freeinode && ino < sb.ninodes
      modifies this
      ensures r.Success? <==> RoomFor(old(freeblock), old(fs).inodes[ino].size, old(fs).inodes[ino].size + |bytes|)
      ensures r.Aborted? ==> old(fs).inodes[ino].size + |bytes| > MAXFILE * BSIZE
      ensures r.Aborted? ==> Blank()
      ensures r.Died? ==> AtTheEnd()
      ensures r.Success? ==>
        && Valid() && freeinode == old(freeinode) && Appended(sb, old(fs), fs, ino, bytes)
        && freeblock + Needs(old(fs).inodes[ino].size) == old(freeblock) + Needs(fs.inodes[ino].size)
    {
      hide Owned, Tidy, NoHoles, Written, Needs, Laid, Appended;
      ghost var fs0 := fs;
      AppendStart(sb, fs, ino);
      var off;
      r, off := AppendAll(ino, fs.inodes[ino].size, bytes);
      if !r.Success? {
        return;
      }
      AppendEnds(sb, fs0, fs, freeblock, owner, ino, fs0.inodes[ino].size, bytes);
      fs := WithSize(fs, ino, off);
      TidyHasNoHoles(sb, fs);
    }

    /** Its loop. */
    method AppendAll(ino: nat, off0: nat, bytes: seq<Byte>) returns (r: End, off: nat)
      requires Made(sb, fs, freeblock, owner) && Laid(sb, fs, ino, off0) && Written(sb, fs, fs, ino, off0, [])
      modifies this
      ensures r.Success? <==> RoomFor(old(freeblock), off0, off0 + |bytes|)
      ensures r.Aborted? ==> off0 + |bytes| > MAXFILE * BSIZE && Blank()
      ensures r.Died? ==> AtTheEnd()
      ensures r.Success? ==>
        && off == off0 + |bytes| && Made(sb, fs, freeblock, owner) && Laid(sb, fs, ino, off)
        && freeinode == old(freeinode) && freeblock + Needs(off0) == old(freeblock) + Needs(off)
        && Written(sb, old(fs), fs, ino, off0, bytes)
        && forall i :: 0 <= i < sb.ninodes && i != ino ==> fs.inodes[i] == old(fs).inodes[i]
    {
      hide Owned, Written, Needs, Laid, TurnLength;
      ghost var fs0 := fs;
      var n := |bytes|;
      off := off0;
      WrittenFits(sb, fs, fs, ino, off0, []);
      while n > 0
        invariant 0 <= n <= |bytes| && off == off0 + |bytes| - n && off <= MAXFILE * BSIZE
        invariant Made(sb, fs, freeblock, owner) && Laid(sb, fs, ino, off) && freeinode == old(freeinode)
        invariant freeblock + Needs(off0) == old(freeblock) + Needs(off)
        invariant Written(sb, fs0, fs, ino, off0, bytes[..|bytes| - n])
        invariant forall i :: 0 <= i < sb.ninodes && i != ino ==> fs.inodes[i] == fs0.inodes[i]
      {
        if off / BSIZE >= MAXFILE {
          PastTheLimit(off);
          return Aborted, off;
        }
        var done := |bytes| - n;
        var len := TurnLength(off, n);
        WithinLimit(off, len);
        ghost var fs1 := fs;
        NeedsMore(off + len, off0 + |bytes|);
        r := AppendTurn(ino, off, bytes[done..done + len]);
        if r.Died? {
          return;
        }
        WrittenTransitive(sb, fs0, fs1, fs, ino, off0, bytes[..done], bytes[done..done + len]);
        JoinSlices(bytes, 0, done, done + len);
        n, off := n - len, off + len;
      }
      assert bytes[..|bytes|] == bytes;
      return Success, off;
    }

    /** The loop of `main` that copies one file, in whatever pieces `read` returned it. */
    method AppendChunks(inum: nat, chunks: seq<seq<Byte>>) returns (r: End)
      requires Valid() && inum < freeinode && inum < sb.ninodes && fs.inodes[inum].size == 0
      modifies this
      ensures r.Success? <==> RoomFor(old(freeblock), 0, |Join(chunks)|)
      ensures r.Aborted? ==> |Join(chunks)| > MAXFILE * BSIZE && Blank()
      ensures r.Died? ==> AtTheEnd()
      ensures r.Success? ==>
        && Valid() && freeinode == old(freeinode) && freeblock == old(freeblock) + Needs(|Join(chunks)|)
        && Appended(sb, old(fs), fs, inum, Join(chunks))
    {
      hide Owned, Tidy, NoHoles, Files;
      ghost var fs0 := fs;
      var i := 0;
      AppendedNothing(sb, fs, inum);
      while i < |chunks|
        invariant 0 <= i <= |chunks| && Valid() && freeinode == old(freeinode)
        invariant Appended(sb, fs0, fs, inum, Join(chunks[..i])) && fs.inodes[inum].size == |Join(chunks[..i])|
        invariant freeblock == old(freeblock) + Needs(fs.inodes[inum].size)
      {
        ghost var fs1 := fs;
        JoinNext(chunks, i);
        NeedsMore(|Join(chunks[..i + 1])|, |Join(chunks)|);
        r := Iappend(inum, chunks[i]);
        if !r.Success? {
          return;
        }
        AppendedTwice(sb, fs0, fs1, fs, inum, Join(chunks[..i]), chunks[i]);
        i := i + 1;
      }
      assert chunks[..|chunks|] == chunks;
      SizesFit(sb, fs, inum);
      return Success;
    }

    ghost predicate Holding(files: seq<File>)
      reads this
    {
      && Valid() && freeinode == |files| + 2 && Holds(Files(sb, fs), files)
      && freeblock == sb.dstart + BlocksFor(files) && Fits(sb, files)
    }

    /** One file of `main`: an inode, an entry in the root directory, the contents. */
    method AddFile(f: File, ghost files: seq<File>) returns (r: End)
      requires Holding(files) && |files| + 3 <= sb.ninodes
      modifies this
      ensures r.Success? <==> Fits(sb, files + [f])
      ensures r.Aborted? ==> !ShortEnough(files + [f]) && Blank()
      ensures r.Died? ==> AtTheEnd()
      ensures r.Success? ==> Holding(files + [f])
    {
      hide Owned, Tidy, NoHoles, Files, Needs, Join, Root, AllNeed, Dirent;
      ghost var t := Files(sb, fs);
      BlocksForNext(files, f);
      ShortNext(files, f);
      NeedsNothing();
      var inum := Ialloc();
      assert fs.inodes[ROOTINO].size == |t[ROOTINO]| == |Root(files)|;
      r := Iappend(ROOTINO, Dirent(inum, f.name));
      if !r.Success? {
        return;
      }
      ghost var t1 := Files(sb, fs);
      r := AppendChunks(inum, f.chunks);
      if !r.Success? {
        return;
      }
      HoldsNext(t, t1, Files(sb, fs), files, f);
    }

    /** The start of `main`: the root directory with `.` and `..`. */
    method MakeRoot() returns (r: End)
      requires Valid() && freeinode == 1 && freeblock == sb.dstart && 2 <= sb.ninodes
      modifies this
      ensures r == if Fits(sb, []) then Success else Died
      ensures r.Died? ==> AtTheEnd()
      ensures r.Success? ==> Holding([])
    {
      hide Owned, Tidy, NoHoles, Files, Dirent;
      var rootino := Ialloc();
      assert rootino == ROOTINO;
      r := Iappend(rootino, Dirent(rootino, [0x2e]));
      if !r.Success? {
        return;
      }
      r := Iappend(rootino, Dirent(rootino, [0x2e, 0x2e]));
    }

    /** `balloc`: the bitmap, in its first block; the program stops if that is not enough. */
    method Balloc(ghost files: seq<File>) returns (r: End)
      requires Made(sb, fs, freeblock, owner) && Finished(sb, fs, files)
      modifies this
      ensures r == if old(freeblock) < BPB then Success else Aborted
      ensures freeblock == old(freeblock) && (r.Aborted? ==> fs == old(fs))
      ensures r.Success? ==> Ok(sb, fs, Book(Below(sb, freeblock), owner, {}), {}) && Finished(sb, fs, files)
    {
      hide Owned, Finished, FirstBits, BitsMatch;
      if freeblock >= BPB {
        return Aborted;
      }
      var buf := UsedBits(freeblock);
      BitmapMatches(sb, fs, freeblock, owner, buf);
      BitmapKeeps(sb, fs, freeblock, owner, buf);
      BitmapFinished(sb, fs, freeblock, owner, files, buf);
      fs := PutBlock(fs, sb.bmapstart, buf);
      return Success;
    }

    /**
     `main`: it completes exactly if no file is too long, the disk has all the blocks that the files
     need and one bitmap block is enough for them. Then the image satisfies the invariants that the
     kernel keeps, and holds the files. Otherwise it stops before the bitmap is written: at the first
     block number past the end of the disk if the disk is what is too small.
     */
    method Make(files: seq<File>) returns (r: End)
      requires Valid() && freeinode == 1 && freeblock == sb.dstart && |files| + 2 <= sb.ninodes
      modifies this
      ensures r.Success? <==> Fits(sb, files) && sb.dstart + BlocksFor(files) < BPB
      ensures ShortEnough(files) ==> (r.Died? <==> sb.dstart + BlocksFor(files) > sb.size)
      ensures r.Died? ==> AtTheEnd()
      ensures r.Aborted? ==> Blank()
      ensures r.Success? ==> Ok(sb, fs, Book(Below(sb, sb.dstart + BlocksFor(files)), owner, {}), {}) && Finished(sb, fs, files)
    {
      hide Owned, Tidy, NoHoles, Files, Holds, Finished, BlocksFor, BitsMatch, ShortEnough;
      assert files[..0] == [];
      r := MakeRoot();
      if !r.Success? {
        NotYet(sb, files, 0);
        return;
      }
      var i := 0;
      while i < |files|
        invariant 0 <= i <= |files| && Holding(files[..i])
      {
        assert files[..i] + [files[i]] == files[..i + 1];
        r := AddFile(files[i], files[..i]);
        if !r.Success? {
          NotYet(sb, files, i + 1);
          return;
        }
        i := i + 1;
      }
      assert files[..i] == files;
      RoundedFinished(sb, fs, freeblock, owner, files);
      fs := Rounded(fs);
      r := Balloc(files);
    }
  }

  /** Files whose first `n` do not fit do not fit, and are too long if these are. */
  lemma NotYet(sb: Super, files: seq<File>, n: nat)
    requires n <= |files| && !Fits(sb, files[..n])
    ensures !Fits(sb, files) && (ShortEnough(files) ==> ShortEnough(files[..n]))
  {
    if Fits(sb, files) { FitsPrefix(sb, files, n); }
    if ShortEnough(files) { FitsPrefix(sb.(size := sb.dstart + BlocksFor(files)), files, n); }
  }

  lemma ShortNext(files: seq<File>, f: File)
    ensures ShortEnough(files + [f]) <==>
      ShortEnough(files) && |Root(files)| + DIRENT <= MAXFILE * BSIZE && |Join(f.chunks)| <= MAXFILE * BSIZE
  {
    hide Join, Root;
    var more := files + [f];
    BlocksForNext(files, f);
    assert more[|files|] == f && forall k :: 0 <= k < |files| ==> more[k] == files[k];
  }

  lemma NeedsNothing()
    ensures Needs(0) == 0
  {
  }

  lemma WrittenFits(sb: Super, fs: Fs, fs': Fs, ino: nat, pos: nat, bytes: seq<Byte>)
    requires Written(sb, fs, fs', ino, pos, bytes)
    ensures pos + |bytes| <= MAXFILE * BSIZE
  {
  }

  lemma PastTheLimit(off: nat)
    requires off / BSIZE >= MAXFILE
    ensures off >= MAXFILE * BSIZE
  {
  }

  lemma WithinLimit(off: nat, len: nat)
    requires off / BSIZE < MAXFILE && off % BSIZE + len <= BSIZE
    ensures off + len <= MAXFILE * BSIZE
  {
    assert off == off / BSIZE * BSIZE + off % BSIZE;
  }

  lemma SizesFit(sb: Super, fs: Fs, i: nat)
    requires Shape(sb, fs) && NoHoles(sb, fs) && i < sb.ninodes
    ensures fs.inodes[i].size <= MAXFILE * BSIZE
  {
  }

  // ------------------------------------------------------------------ two runs

  /** The layout that the program computes from its constants. */
  const LAYOUT := Super(2000, 200, 32, 45, 46)

  lemma {:induction false} SameNeeds(files: seq<File>, size: nat)
    requires forall k :: 0 <= k < |files| ==> |Join(files[k].chunks)| == size
    ensures AllNeed(files) == |files| * Needs(size)
  {
    hide Needs, Join;
    if files != [] { SameNeeds(files[..|files| - 1], size); }
  }

  /** With 62 files the root directory fills its block: its last block is not there. */
  method SixtyTwoFiles(names: seq<seq<Byte>>) returns (im: Image, r: End)
    requires |names| == 62
    ensures r.Success? && im.sb == LAYOUT && Shape(im.sb, im.fs) && !NoHoles(im.sb, im.fs)
    ensures im.fs.inodes[ROOTINO].size == 2 * BSIZE
  {
    hide Owned, NoHoles, Tidy, BitsMatch, Root;
    var files := seq(62, k requires 0 <= k < 62 => File(names[k], []));
    SameNeeds(files, 0);
    assert Fits(LAYOUT, files);
    im := new Image(LAYOUT);
    r := im.Make(files);
  }

  /** Eight files of the largest size need more blocks than the disk has: the program dies at its end. */
  method EightLargeFiles(names: seq<seq<Byte>>) returns (im: Image, r: End)
    requires |names| == 8
    ensures r.Died? && im.sb == LAYOUT && im.AtTheEnd() && im.freeblock == 2001
  {
    hide Owned, NoHoles, BitsMatch, Finished, Root, Join;
    var files := seq(8, k requires 0 <= k < 8 => File(names[k], [Zeros(MAXFILE * BSIZE)]));
    forall k | 0 <= k < 8 ensures |Join(files[k].chunks)| == MAXFILE * BSIZE { JoinOne(Zeros(MAXFILE * BSIZE)); }
    SameNeeds(files, MAXFILE * BSIZE);
    assert ShortEnough(files);
    im := new Image(LAYOUT);
    r := im.Make(files);
  }

  lemma JoinOne(c: seq<Byte>)
    ensures Join([c]) == c
  {
    assert [c][..0] == [];
  }
}
